/** The pieces of msg_receive: taking a message, answering with a noted interrupt, and
    blocking, each with interrupts at any point. */
module IpcReceive {
  import opened Ipc
  import opened IpcTable
  import opened IpcCode
  import opened IpcPaths

  // ---------------------------------------------------------------------------
  // Taking a message

  lemma TakeActs(r: int, from: int, prev: int, after: int, m: int, n: nat)
    ensures var code := TakeCode(r, from, prev, after, m, n);
            && |code| == 21
            && code[9] == (if prev == NIL then Put(r, Head, after) else Put(prev, Next, after))
                && code[10] == Put(from, Next, NIL)
            && code[11] == Check(from, MsgPtr, 0, false) && code[12] == SrcOf(from) && code[13] == Dst(m)
            && code[14] == Copy(Source) && code[15] == Copy(Kind) && code[16] == Copy(Body)
            && code[17] == Put(from, MsgPtr, 0) && code[18] == Put(from, SendTo, n + 20)
                && code[19] == Put(from, FlagSending, 0)
            && code[20] == Check(from, Flags, 0, true)
  {
  }

  /** The assertions before a message is taken. */
  lemma TakeChecks(a: State, c: Core, r: int, from: int, prev: int, after: int, m: int)
    requires Stands(a, c) && a.Pid(r) && a.status[r].Ready? && a.SendsTo(from, r) && c.procs[r].head != NIL
    ensures RunCode(TakeCode(r, from, prev, after, m, |c.procs|), 0, 9, c) == c
  {
    hide RunCode, Good, Linked;
    var code := TakeCode(r, from, prev, after, m, |c.procs|);
    HasMessageOf(a, from);
    forall j | 0 <= j < 9 ensures Passes(code[j], c) {
    }
    ChecksPass(code, 0, 9, c);
  }

  lemma HasMessageOf(a: State, p: int)
    requires Good(a) && a.Pid(p) && a.status[p].Sending?
    ensures a.status[p].at != 0
  {
    HasMessage(a, p);
  }

  lemma TakeUnlinks(c: Core, r: int, q: seq<int>, i: nat, m: int)
    requires c.ok && c.Has(r) && i < |q| && forall j: nat | j < |q| :: 0 <= q[j] < |c.procs|
    ensures var prev := if i == 0 then NIL else q[i - 1];
            RunCode(TakeCode(r, q[i], prev, c.procs[q[i]].next, m, |c.procs|), 9, 11, c)
                == c.(procs := Removed(c.procs, r, q, i))
  {
    hide TakeCode, RunCode;
    var prev := if i == 0 then NIL else q[i - 1];
    var after := c.procs[q[i]].next;
    var code := TakeCode(r, q[i], prev, after, m, |c.procs|);
    TakeActs(r, q[i], prev, after, m, |c.procs|);
    RunOne(code, 9, c);
    RunOne(code, 10, Exec(code[9], c));
    RunJoin(code, 9, 10, 11, c);
  }

  lemma TakeMoves(c: Core, r: int, from: int, prev: int, after: int, m: int)
    requires c.ok && c.Has(from) && c.procs[from].msg != 0 && c.procs[from].msg != m && !c.procs[from].receiving
    ensures RunCode(TakeCode(r, from, prev, after, m, |c.procs|), 11, 21, c)
         == c.(procs := Unmarked(c.procs, from), mem := c.mem[m := Load(c.mem, c.procs[from].msg)],
               dst := m, src := c.procs[from].msg)
  {
    hide TakeCode, RunCode, Load;
    var code := TakeCode(r, from, prev, after, m, |c.procs|);
    TakeActs(r, from, prev, after, m, |c.procs|);
    ChecksPass(code, 11, 12, c);
    RunOne(code, 12, c);
    RunOne(code, 13, Exec(code[12], c));
    var c14 := c.(src := c.procs[from].msg, dst := m);
    RunJoin(code, 11, 12, 13, c);
    RunJoin(code, 11, 13, 14, c);
    assert RunCode(code, 11, 14, c) == c14;
    CopyWhole(code, 14, c14);
    RunJoin(code, 11, 14, 17, c);
    var c17 := c14.(mem := c.mem[m := Load(c.mem, c.procs[from].msg)]);
    TakePuts(c17, r, from, prev, after, m);
    RunJoin(code, 11, 17, 21, c);
  }

  lemma TakePuts(c: Core, r: int, from: int, prev: int, after: int, m: int)
    requires c.ok && c.Has(from) && !c.procs[from].receiving
    ensures RunCode(TakeCode(r, from, prev, after, m, |c.procs|), 17, 21, c) == c.(procs := Unmarked(c.procs, from))
  {
    hide TakeCode, RunCode, Set, Get;
    var code := TakeCode(r, from, prev, after, m, |c.procs|);
    TakeActs(r, from, prev, after, m, |c.procs|);
    PutThree(code, 17, c, from, MsgPtr, 0, SendTo, |c.procs| + 20, FlagSending, 0);
    UnmarkedBySets(c.procs[from], |c.procs|);
    LastCheck(code, c.(procs := Unmarked(c.procs, from)), from);
    RunJoin(code, 17, 20, 21, c);
  }

  lemma LastCheck(code: seq<Instr>, c: Core, from: int)
    requires |code| == 21 && code[20] == Check(from, Flags, 0, true)
    requires c.ok && c.Has(from) && !c.procs[from].sending && !c.procs[from].receiving
    ensures RunCode(code, 20, 21, c) == c
  {
    RunOne(code, 20, c);
  }

  lemma UnmarkedBySets(e: Proc, n: nat)
    ensures Set(Set(Set(e, MsgPtr, 0), SendTo, n + 20), FlagSending, 0)
            == e.(msg := 0, sendTo := n + 20, sending := false)
  {
  }

  /** Left alone: `from` is out of the list of `r` and ready, its message with `r`. */
  lemma TakeEffect(a: State, c: Core, r: int, i: nat, m: int)
    requires Stands(a, c) && a.Pid(r) && a.status[r].Ready? && Private(a, m)
    requires |a.queues| == |a.status| && i < |a.queues[r]|
    ensures forall j: nat | j < |a.queues[r]| :: 0 <= a.queues[r][j] < |c.procs|
    ensures var q := a.queues[r];
            var prev := if i == 0 then NIL else q[i - 1];
            a.SendsTo(q[i], r)
            && RunAll(TakeCode(r, q[i], prev, c.procs[q[i]].next, m, |c.procs|), c)
            == c.(procs := Unmarked(Removed(c.procs, r, q, i), q[i]),
                  mem := c.mem[m := Load(c.mem, a.status[q[i]].at)], dst := m, src := a.status[q[i]].at)
  {
    hide RunCode, TakeCode, Acyclic, StatusOk, Load;
    var q := a.queues[r];
    var from := q[i];
    var prev := if i == 0 then NIL else q[i - 1];
    var after := c.procs[from].next;
    var code := TakeCode(r, from, prev, after, m, |c.procs|);
    TakeActs(r, from, prev, after, m, |c.procs|);
    ListInside(c.procs, a, r);
    assert QueueOk(a, r) && from in q;
    EndsWithNil(c.procs, r, q, 0);
    TakeChecks(a, c, r, from, prev, after, m);
    TakeUnlinks(c, r, q, i, m);
    HasMessageOf(a, from);
    RemovedEntry(c.procs, r, q, i);
    var c11 := c.(procs := Removed(c.procs, r, q, i));
    TakeMoves(c11, r, from, prev, after, m);
    RunJoin(code, 0, 9, 11, c);
    RunJoin(code, 0, 11, 21, c);
  }

  /** Unlinking changes no field but the links. */
  lemma RemovedEntry(procs: seq<Proc>, d: int, q: seq<int>, i: nat)
    requires 0 <= d < |procs| && i < |q| && forall i: nat | i < |q| :: 0 <= q[i] < |procs|
    ensures |Removed(procs, d, q, i)| == |procs|
    ensures var e := Removed(procs, d, q, i)[q[i]]; e.msg == procs[q[i]].msg && e.receiving == procs[q[i]].receiving
  {
  }

  lemma TakeStands(a: State, c: Core, r: int, i: nat, m: int)
    requires Stands(a, c) && a.Pid(r) && a.status[r].Ready? && Private(a, m)
    requires |a.queues| == |a.status| && i < |a.queues[r]|
    ensures forall j: nat | j < |a.queues[r]| :: 0 <= a.queues[r][j] < |c.procs|
    ensures var q := a.queues[r];
            var prev := if i == 0 then NIL else q[i - 1];
            a.SendsTo(q[i], r)
            && Stands(Take(a, r, q[i], m), Settle(RunAll(TakeCode(r, q[i], prev, c.procs[q[i]].next, m, |c.procs|), c)))
  {
    hide RunAll, TakeCode, Acyclic, StatusOk, Linked, Removed, QueueOk;
    TakeEffect(a, c, r, i, m);
    TakeGood(a, r, a.queues[r][i], m);
    TiedTaken(c.procs, a, r, i, m);
  }

  lemma TakeSafe(a: State, c: Core, r: int, from: int, prev: int, after: int, m: int)
    requires Stands(a, c) && a.Pid(r) && a.status[r].Ready? && Private(a, m) && a.SendsTo(from, r)
    ensures AllSafe(TakeCode(r, from, prev, after, m, |c.procs|), 0, c, -1)
  {
    hide Tied, Good;
    var code := TakeCode(r, from, prev, after, m, |c.procs|);
    forall t | t != -1 ensures Safe(code, 0, c, t) {
      if c.Has(t) {
        AlertWaits(a, c, t);
        if Alert(c.procs[t], |c.procs|) {
          OwnsBuffer(a, c, t);
          assert forall j | 0 <= j < |code| :: Aside(code[j], t, c.procs[t].msg);
        } else {
          assert forall j | 0 <= j < |code| :: Calm(code[j], t, |c.procs|);
        }
      }
    }
  }

  // ---------------------------------------------------------------------------
  // Interrupts for the receiver itself

  predicate AllAre(ts: seq<int>, r: int) { forall i | 0 <= i < |ts| :: ts[i] == r }

  function Flagged(c: Core, r: int, h: bool): Core
    requires c.Has(r)
  {
    c.(procs := c.procs[r := c.procs[r].(hasInt := h)])
  }

  /** A process that is not alert has its interrupts noted. */
  lemma {:induction false} NotifyCalmTask(ts: seq<int>, c: Core, r: int)
    requires c.Has(r) && AllAre(ts, r) && !Alert(c.procs[r], |c.procs|)
    ensures NotifyAll(ts, c) == Flagged(c, r, c.procs[r].hasInt || ts != [])
  {
    if ts == [] {
      assert c.procs[r := c.procs[r]] == c.procs;
    } else {
      NotifyCalmTask(ts[..|ts| - 1], c, r);
    }
  }

  /** An alert process is woken by the first and has the others noted. */
  lemma {:induction false} NotifyAlertTask(ts: seq<int>, c: Core, r: int)
    requires c.Has(r) && AllAre(ts, r) && Alert(c.procs[r], |c.procs|) && ts != []
    ensures NotifyAll(ts, c) == Flagged(Notify(c, r), r, |ts| > 1)
  {
    var us := ts[..|ts| - 1];
    assert ts[|ts| - 1] == r;
    if us == [] {
      assert NotifyAll(ts, c) == Notify(c, r);
      assert Notify(c, r).procs[r := Notify(c, r).procs[r].(hasInt := false)] == Notify(c, r).procs;
    } else {
      NotifyAlertTask(us, c, r);
    }
  }

  /** Assertions and noted interrupts change nothing in an entry that has one noted. */
  lemma {:induction false} ChecksAndNotices(code: seq<Instr>, own: seq<seq<int>>, i: nat, k: nat, c: Core, r: int)
    requires i <= k <= |code| < |own| && forall j | i <= j < k :: code[j].Check?
    requires c.Has(r) && c.procs[r].hasInt && !Alert(c.procs[r], |c.procs|)
             && forall j | 0 <= j < |own| :: AllAre(own[j], r)
    ensures Play(code, own, i, k, c).procs == c.procs
  {
    if i < k {
      ChecksAndNotices(code, own, i, k - 1, c, r);
      var before := Exec(code[k - 1], Play(code, own, i, k - 1, c));
      NotifyCalmTask(own[k], before, r);
      assert c.procs[r := c.procs[r]] == c.procs;
    }
  }

  lemma {:induction false} PlayStopped(code: seq<Instr>, irq: seq<seq<int>>, i: nat, k: nat, c: Core)
    requires i <= k <= |code| < |irq| && !c.ok
    ensures !Play(code, irq, i, k, c).ok
  {
    if i < k {
      PlayStopped(code, irq, i, k - 1, c);
      NotifyAllOk(irq[k], Exec(code[k - 1], Play(code, irq, i, k - 1, c)));
    }
  }

  lemma OwnAreAll(irq: seq<seq<int>>, r: int)
    ensures forall j | 0 <= j < |irq| :: AllAre(Only(irq, r)[j], r) && (Only(irq, r)[j] == [] <==> r !in irq[j])
  {
    forall j | 0 <= j < |irq| ensures AllAre(Only(irq, r)[j], r) && (Only(irq, r)[j] == [] <==> r !in irq[j]) {
      OnlyAmong(irq[j], r);
      forall i | 0 <= i < |Only(irq, r)[j]| ensures Only(irq, r)[j][i] == r {
        assert Only(irq, r)[j][i] in OnlyOf(irq[j], r);
      }
      if r !in irq[j] {
        NoneOnly(irq[j], r);
      }
    }
  }

  // ---------------------------------------------------------------------------
  // A noted interrupt

  lemma NotedActs(r: int, m: int, n: nat)
    ensures var code := NotedCode(r, m, n);
            && |code| == 9 && code[0] == Dst(m)
            && code[1] == Fill(Source, INTERRUPT) && code[2] == Fill(Kind, HARD_INT) && code[3] == Fill(Body, 0)
            && code[4] == Put(r, HasInt, 0) && code[8] == Check(r, HasInt, 0, true)
            && forall j | 5 <= j < 9 :: code[j].Check?
  {
  }

  lemma NotedSafe(a: State, c: Core, r: int, m: int)
    requires Stands(a, c) && a.Pid(r) && a.status[r].Ready? && Private(a, m)
    ensures AllSafe(NotedCode(r, m, |c.procs|), 0, c, r)
  {
    hide Tied, Good;
    var code := NotedCode(r, m, |c.procs|);
    forall t | t != r ensures Safe(code, 0, c, t) {
      if c.Has(t) {
        AlertWaits(a, c, t);
        if Alert(c.procs[t], |c.procs|) {
          OwnsBuffer(a, c, t);
          assert forall j | 0 <= j < |code| :: Aside(code[j], t, c.procs[t].msg);
        } else {
          assert forall j | 0 <= j < |code| :: Calm(code[j], t, |c.procs|);
        }
      }
    }
  }

  /** The message of an interrupt in the buffer, and the flag cleared. */
  lemma NotedFills(c: Core, r: int, m: int)
    requires c.ok && c.Has(r)
    ensures var code := NotedCode(r, m, |c.procs|);
            && RunCode(code, 0, 4, c) == c.(dst := m, mem := c.mem[m := Msg(INTERRUPT, HARD_INT, 0)])
            && RunCode(code, 0, 5, c) == Flagged(c, r, false).(dst := m, mem := c.mem[m := Msg(INTERRUPT, HARD_INT, 0)])
  {
    hide NotedCode, RunCode;
    var code := NotedCode(r, m, |c.procs|);
    NotedActs(r, m, |c.procs|);
    RunOne(code, 0, c);
    FillThree(code, 1, c.(dst := m), INTERRUPT, HARD_INT, 0);
    RunJoin(code, 0, 1, 4, c);
    RunOne(code, 4, RunCode(code, 0, 4, c));
    RunJoin(code, 0, 4, 5, c);
  }

  lemma FillThree(code: seq<Instr>, i: nat, c: Core, u: int, v: int, w: int)
    requires i + 3 <= |code| && c.ok
    requires code[i] == Fill(Source, u) && code[i + 1] == Fill(Kind, v) && code[i + 2] == Fill(Body, w)
    ensures RunCode(code, i, i + 3, c) == c.(mem := c.mem[c.dst := Msg(u, v, w)])
  {
    RunOne(code, i, c);
    var l := Load(c.mem, c.dst);
    assert RunCode(code, i, i + 1, c) == c.(mem := c.mem[c.dst := l.(source := u)]);
    assert RunCode(code, i, i + 2, c) == c.(mem := c.mem[c.dst := l.(source := u, kind := v)]);
  }

  lemma NotedEffect(a: State, c: Core, r: int, m: int)
    requires Stands(a, c) && a.Pid(r) && a.status[r].Ready?
    ensures c.Has(r)
    ensures RunAll(NotedCode(r, m, |c.procs|), c)
         == Flagged(c, r, false).(dst := m, mem := c.mem[m := Msg(INTERRUPT, HARD_INT, 0)])
  {
    hide RunCode, Good, Linked;
    var code := NotedCode(r, m, |c.procs|);
    NotedFills(c, r, m);
    var c5 := RunCode(code, 0, 5, c);
    forall j | 5 <= j < 9 ensures Passes(code[j], c5) {
    }
    ChecksPass(code, 5, 9, c5);
    RunJoin(code, 0, 5, 9, c);
  }

  lemma NotedStands(a: State, c: Core, r: int, src: int, m: int)
    requires Stands(a, c) && ReceiveAllowed(a, r, src, m) && |a.ints| == |a.status| && Notified(a, r, src)
    ensures |a.queues| == |a.status| && Stands(Fetch(a, r, src, m), Settle(RunAll(NotedCode(r, m, |c.procs|), c)))
  {
    hide RunAll, NotedCode, QueueOk, Acyclic, StatusOk, Linked;
    NotedEffect(a, c, r, m);
    NoticedGood(a, r, m);
    TiedUpdate(c.procs, a, r, Flagged(c, r, false).procs[r], Fetch(a, r, src, m));
  }

  /** Up to the clearing of the flag more interrupts make no difference. */
  lemma {:induction false} NotedPrefix(c: Core, r: int, m: int, own: seq<seq<int>>, k: nat)
    requires |own| == 10 && k <= 4 && c.ok && c.Has(r) && c.procs[r].hasInt && !Alert(c.procs[r], |c.procs|)
    requires forall j | 0 <= j < |own| :: AllAre(own[j], r)
    ensures var code := NotedCode(r, m, |c.procs|);
            Play(code, own, 0, k, NotifyAll(own[0], c)) == RunCode(code, 0, k, c)
                && RunCode(code, 0, k, c).procs == c.procs
  {
    hide NotedCode, NotifyAll;
    NotedActs(r, m, |c.procs|);
    var code := NotedCode(r, m, |c.procs|);
    assert c.procs[r := c.procs[r]] == c.procs;
    if k == 0 {
      NotifyCalmTask(own[0], c, r);
    } else {
      NotedPrefix(c, r, m, own, k - 1);
      NotifyCalmTask(own[k], RunCode(code, 0, k, c), r);
    }
  }

  /** Answering with a noted interrupt ends well if and only if the receiver is not
      informed again between the clearing of its flag and the last assertion, and then
      interrupts might as well come at the end. */
  lemma NotedExactly(a: State, c: Core, r: int, m: int, irq: seq<seq<int>>) returns (rest: seq<int>)
    requires Stands(a, c) && a.Pid(r) && a.status[r].Ready? && Private(a, m) && |a.ints| == |a.status| && a.ints[r]
    requires |irq| == 10 && InTable(irq, |c.procs|)
    ensures var code := NotedCode(r, m, |c.procs|);
            && (PlayAll(code, irq, c).ok <==> forall j | 5 <= j < 9 :: r !in irq[j])
            && (PlayAll(code, irq, c).ok ==> PlayAll(code, irq, c) == NotifyAll(rest, RunAll(code, c)))
            && forall t <- rest :: c.Has(t)
  {
    hide NotedCode, Stands, RunCode, Play, NotifyAll, AllSafe;
    var n := |c.procs|;
    var code, own := NotedCode(r, m, n), Only(irq, r);
    NotedActs(r, m, n);
    ReadyEntry(a, c, r);
    OwnAreAll(irq, r);
    NotedSafe(a, c, r, m);
    var others := OnlyXMatters(code, irq, c, r);
    rest := own[9] + others;
    OnlyInTable(irq, r, n);
    NotedEnd(a, c, r, m, own);
    NotifyAppend(own[9], others, RunAll(code, c));
    NotifyAllOk(others, PlayAll(code, own, c));
  }

  lemma ReadyEntry(a: State, c: Core, r: int)
    requires Stands(a, c) && a.Pid(r) && a.status[r].Ready?
    ensures c.ok && c.Has(r) && |a.ints| == |a.status| && c.procs[r].hasInt == a.ints[r] && |c.procs| == |a.status|
    ensures Shows(c.procs[r], Ready, |c.procs|) && !Alert(c.procs[r], |c.procs|)
  {
    hide Good, Linked;
  }

  lemma NotedEnd(a: State, c: Core, r: int, m: int, own: seq<seq<int>>)
    requires Stands(a, c) && a.Pid(r) && a.status[r].Ready? && |a.ints| == |a.status| && a.ints[r]
    requires |own| == 10 && forall j | 0 <= j < |own| :: AllAre(own[j], r)
    ensures var code := NotedCode(r, m, |c.procs|);
            && (PlayAll(code, own, c).ok <==> forall j | 5 <= j < 9 :: own[j] == [])
            && (PlayAll(code, own, c).ok ==> PlayAll(code, own, c) == NotifyAll(own[9], RunAll(code, c)))
  {
    hide NotedCode, Stands, RunCode, NotifyAll;
    var n := |c.procs|;
    var code := NotedCode(r, m, n);
    NotedActs(r, m, n);
    ReadyEntry(a, c, r);
    NotedPrefix(c, r, m, own, 4);
    NotedFills(c, r, m);
    var c5 := RunCode(code, 0, 5, c);
    RunJoin(code, 0, 4, 5, c);
    RunOne(code, 4, RunCode(code, 0, 4, c));
    var start := NotifyAll(own[0], c);
    assert Play(code, own, 0, 5, start) == NotifyAll(own[5], c5);
    NotedTail(c5, r, m, own);
    NotedEffect(a, c, r, m);
    RunJoin(code, 0, 5, 9, c);
    PlayJoin(code, own, 0, 5, 9, start);
  }

  /** The assertions, from the clearing of the flag on. */
  lemma NotedTail(c: Core, r: int, m: int, own: seq<seq<int>>)
    requires c.ok && c.Has(r) && !c.procs[r].hasInt && Shows(c.procs[r], Ready, |c.procs|)
    requires |own| == 10 && forall j | 0 <= j < |own| :: AllAre(own[j], r)
    ensures var code := NotedCode(r, m, |c.procs|);
            var f := Play(code, own, 5, 9, NotifyAll(own[5], c));
            && (f.ok <==> forall j | 5 <= j < 9 :: own[j] == [])
            && (f.ok ==> f == NotifyAll(own[9], RunCode(code, 5, 9, c)))
  {
    hide NotedCode, RunCode, NotifyAll;
    var code := NotedCode(r, m, |c.procs|);
    NotedActs(r, m, |c.procs|);
    NotedChecks(c, r, m);
    if forall j | 5 <= j < 9 :: own[j] == [] {
      NotifyCalmTask(own[5], c, r);
      assert c.procs[r := c.procs[r]] == c.procs;
      PlayQuiet(code, own, 5, 8, c);
      NotifyAllOk(own[9], c);
      RunJoin(code, 5, 8, 9, c);
      RunOne(code, 8, RunCode(code, 5, 8, c));
    } else {
      var k :| 5 <= k < 9 && own[k] != [] && forall j | 5 <= j < k :: own[j] == [] by {
        var k := FirstNonEmpty(own, 5, 9);
      }
      NotedSpoilt(c, r, m, own, k);
    }
  }

  lemma {:induction false} FirstNonEmpty(own: seq<seq<int>>, i: nat, w: nat) returns (k: nat)
    requires i < w <= |own| && exists j | i <= j < w :: own[j] != []
    ensures i <= k < w && own[k] != [] && forall j | i <= j < k :: own[j] == []
    decreases w - i
  {
    if own[i] != [] {
      k := i;
    } else {
      k := FirstNonEmpty(own, i + 1, w);
    }
  }

  lemma NotedChecks(c: Core, r: int, m: int)
    requires c.ok && c.Has(r) && !c.procs[r].hasInt && Shows(c.procs[r], Ready, |c.procs|)
    ensures forall k | 5 <= k <= 9 :: RunCode(NotedCode(r, m, |c.procs|), 5, k, c) == c
  {
    hide RunCode;
    var code := NotedCode(r, m, |c.procs|);
    assert |code| == 9;
    forall j | 5 <= j < 9 ensures Passes(code[j], c) {
    }
    forall k | 5 <= k <= 9 ensures RunCode(code, 5, k, c) == c {
      ChecksPass(code, 5, k, c);
    }
  }

  lemma NotedSpoilt(c: Core, r: int, m: int, own: seq<seq<int>>, k: nat)
    requires c.ok && c.Has(r) && !c.procs[r].hasInt && Shows(c.procs[r], Ready, |c.procs|)
    requires |own| == 10 && forall j | 0 <= j < |own| :: AllAre(own[j], r)
    requires 5 <= k < 9 && own[k] != [] && forall j | 5 <= j < k :: own[j] == []
    ensures !Play(NotedCode(r, m, |c.procs|), own, 5, 9, NotifyAll(own[5], c)).ok
  {
    hide NotedCode, RunCode, NotifyAll, Shows;
    var code := NotedCode(r, m, |c.procs|);
    NotedActs(r, m, |c.procs|);
    NotedChecks(c, r, m);
    assert !Alert(c.procs[r], |c.procs|) by {
      ShowsCalm(c.procs[r], |c.procs|);
    }
    NotifyCalmTask(own[k], c, r);
    var start, hit := NotifyAll(own[5], c), NotifyAll(own[k], c);
    assert Play(code, own, 5, k, start) == hit by {
      if k > 5 {
        NotifyCalmTask(own[5], c, r);
        assert c.procs[r := c.procs[r]] == c.procs;
        PlayQuiet(code, own, 5, k - 1, c);
        RunJoin(code, 5, k - 1, k, c);
        RunOne(code, k - 1, c);
      }
    }
    PlayJoin(code, own, 5, k, 9, start);
    ChecksAndNotices(code, own, k, 8, hit, r);
    var before := Play(code, own, k, 8, hit);
    NotifyAllOk(own[9], Exec(code[8], before));
  }

  lemma ShowsCalm(e: Proc, n: nat)
    requires Shows(e, Ready, n)
    ensures !Alert(e, n)
  {
  }
}
